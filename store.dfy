/** The conversation the `ChatView` component holds (`useState`), with the
    two ways it changes: the local append on send and the wholesale
    replacement by the remote reply. */
module ConversationStore {
  import Uuid
  import Authors
  import Chat

  /** The outcome of an awaited call: a value, or the message of the error
      it throws. */
  datatype Result<T> = Ok(value: T) | Err(message: string)

  /** The message of the error re-thrown when the remote call fails. */
  const ErrorResponding: string := "Error responding:"

  /** The remote call `chatClient.respondTo`, which is not part of this
      model, is a parameter of this type: the conversation it is sent to the
      conversation it answers with, or the failure it raises. */
  type Responder = Chat.ChatDto -> Result<Chat.ChatDto>

  class ChatView {
    /** `chat.messages` of the component state. */
    var messages: seq<Chat.ChatMessage>

    /** The held `chat`. */
    function Current(): Chat.ChatDto
      reads this
    {
      Chat.ChatDto(messages)
    }

    /** `useState<ChatDto>(initial)`. */
    constructor (initial: Chat.ChatDto)
      ensures messages == initial.messages
    {
      messages := initial.messages;
    }

    /** `chatAfterPressSend`: appends one message to the held conversation,
        stores the result and returns it. */
    method Append(message: Chat.ChatMessage) returns (newChat: Chat.ChatDto)
      modifies this
      ensures messages == old(messages) + [message]
      ensures newChat == Current()
    {
      newChat := Chat.AfterPressSend(Current(), message);
      messages := newChat.messages;
    }

    /** `setChat(newChat)` with the conversation the remote side returned. */
    method Replace(newChat: Chat.ChatDto)
      modifies this
      ensures messages == newChat.messages
    {
      messages := newChat.messages;
    }

    /** `updateChatWithApiReply`: on success the reply replaces the held
        conversation; on failure nothing changes and the call fails with
        "Error responding:". */
    method UpdateChatWithApiReply(localChat: Chat.ChatDto, respondTo: Responder) returns (r: Result<()>)
      modifies this
      ensures respondTo(localChat).Ok? ==> r == Ok(()) && messages == respondTo(localChat).value.messages
      ensures respondTo(localChat).Err? ==> r == Err(ErrorResponding) && messages == old(messages)
    {
      var reply := respondTo(localChat);
      match reply
      case Ok(newChat) =>
        Replace(newChat);
        r := Ok(());
      case Err(_) =>
        r := Err(ErrorResponding);
    }

    /** `handleSendPress`: builds the user's message, appends it, sends the
        extended conversation and takes the reply. When the remote call
        fails, the optimistic append stays and the call fails. */
    method HandleSendPress(text: string, now: int, draws: seq<Uuid.Nibble>, respondTo: Responder)
      returns (r: Result<()>)
      requires |draws| == 31
      modifies this
      ensures var sent := Chat.AfterPressSend(old(Current()), Chat.NewMessage(text, now, draws));
        match respondTo(sent)
        case Ok(reply) => r == Ok(()) && messages == reply.messages
        case Err(_) => r == Err(ErrorResponding) && messages == sent.messages
    {
      var message := Chat.NewMessage(text, now, draws);
      var newChat := Append(message);
      r := UpdateChatWithApiReply(newChat, respondTo);
    }

    /** `mapChatToUiChatMessages(chat)` as the render step calls it: reads
        the held conversation and leaves it as it is. */
    method DisplayedMessages(p: Authors.Participants) returns (ui: seq<Chat.UiTextMessage>)
      ensures |ui| == |messages|
      ensures forall i :: 0 <= i < |ui| ==> ui[i] == Chat.ToUiMessage(p, messages[|messages| - 1 - i])
    {
      ui := Chat.MapChatToUiChatMessages(p, Current());
    }
  }

  /** `chatAfterPressSend` as written: memoised with an empty dependency
      list, its closure keeps the `chat` of the first render (the seed) and
      appends to that, whatever the component holds now. */
  function AfterPressSendAsWritten(firstRender: Chat.ChatDto, current: Chat.ChatDto, message: Chat.ChatMessage)
    : (r: Chat.ChatDto)
    ensures r.messages == firstRender.messages + [message]
  {
    Chat.AfterPressSend(firstRender, message)
  }

  /** Once one exchange has happened (a sent message and a reply on top of
      the seed), the next send as written loses the conversation held: it
      is no longer a prefix of what is stored and sent. */
  lemma AsWrittenLosesHistory(firstRender: Chat.ChatDto, current: Chat.ChatDto, message: Chat.ChatMessage)
    requires |current.messages| >= |firstRender.messages| + 2
    ensures var r := AfterPressSendAsWritten(firstRender, current, message);
      |r.messages| < |current.messages| && !(current.messages <= r.messages)
  {
  }

  /** The concrete case: seed, "hi", the therapist's reply, then "again". */
  lemma AsWrittenSecondSend(seedNow: int, now1: int, now2: int, now3: int,
                            d0: seq<Uuid.Nibble>, d1: seq<Uuid.Nibble>, d2: seq<Uuid.Nibble>, d3: seq<Uuid.Nibble>)
    requires |d0| == |d1| == |d2| == |d3| == 31
    ensures var seed := Chat.ChatOnInitialize(seedNow, d0);
      var hi := Chat.NewMessage("hi", now1, d1);
      var reply := Chat.ChatMessage("therapist", Uuid.Uuid4(d2), "Why?", now2);
      var held := Chat.AfterPressSend(Chat.AfterPressSend(seed, hi), reply);
      var again := Chat.NewMessage("again", now3, d3);
      AfterPressSendAsWritten(seed, held, again).messages == seed.messages + [again] &&
      Chat.AfterPressSend(held, again).messages == seed.messages + [hi, reply, again] &&
      AfterPressSendAsWritten(seed, held, again) != Chat.AfterPressSend(held, again)
  {
  }
}
