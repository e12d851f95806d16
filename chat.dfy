/** The stored conversation (`ChatDto`), the presentation adapter
    `mapChatToUiChatMessages`, the record `handleSendPress` builds, the
    append of `chatAfterPressSend` and the seed `chatOnInitialize`. */
module Chat {
  import Uuid
  import Authors

  /** `ChatMessageDto`; `createdAt` is a millisecond timestamp. */
  datatype ChatMessage = ChatMessage(authorName: string, id: string, content: string, createdAt: int)

  /** `ChatDto`: the messages in storage order, oldest first. */
  datatype ChatDto = ChatDto(messages: seq<ChatMessage>)

  /** The widget's `MessageType.Text` record (`kind` is its `type` tag). */
  datatype UiTextMessage = UiTextMessage(author: Authors.User, createdAt: int, id: string, text: string, kind: string)

  /** Reversal of a list, as `Array.prototype.reverse` leaves its receiver. */
  function Reverse<T>(s: seq<T>): (r: seq<T>)
    ensures |r| == |s|
  {
    if s == [] then [] else [s[|s| - 1]] + Reverse(s[..|s| - 1])
  }

  lemma {:induction false} ReverseAt<T>(s: seq<T>, i: nat)
    requires i < |s|
    ensures Reverse(s)[i] == s[|s| - 1 - i]
  {
    if i > 0 {
      ReverseAt(s[..|s| - 1], i - 1);
    }
  }

  lemma ReverseAll<T>(s: seq<T>)
    ensures forall i :: 0 <= i < |s| ==> Reverse(s)[i] == s[|s| - 1 - i]
  {
    forall i | 0 <= i < |s| {
      ReverseAt(s, i);
    }
  }

  /** Reversing twice gives the list back. */
  lemma ReverseReverse<T>(s: seq<T>)
    ensures Reverse(Reverse(s)) == s
  {
    ReverseAll(s);
    ReverseAll(Reverse(s));
  }

  /** The callback of the `map` in `mapChatToUiChatMessages`. */
  function ToUiMessage(p: Authors.Participants, m: ChatMessage): (u: UiTextMessage)
    ensures u.author == p.me || u.author == p.therapist
    ensures u.id == m.id && u.createdAt == m.createdAt && u.text == m.content && u.kind == "text"
  {
    UiTextMessage(Authors.GetAuthorByName(p, m.authorName), m.createdAt, m.id, m.content, "text")
  }

  /** `Array.prototype.map` with that callback. */
  function MapToUi(p: Authors.Participants, ms: seq<ChatMessage>): (ui: seq<UiTextMessage>)
    ensures |ui| == |ms|
    ensures forall i :: 0 <= i < |ms| ==> ui[i] == ToUiMessage(p, ms[i])
  {
    seq(|ms|, i requires 0 <= i < |ms| => ToUiMessage(p, ms[i]))
  }

  /** Mapping a concatenation maps each part: the records of earlier
      messages do not depend on later ones. */
  lemma MapToUiConcat(p: Authors.Participants, a: seq<ChatMessage>, b: seq<ChatMessage>)
    ensures MapToUi(p, a + b) == MapToUi(p, a) + MapToUi(p, b)
  {
    var l, r := MapToUi(p, a + b), MapToUi(p, a) + MapToUi(p, b);
    forall i | 0 <= i < |l|
      ensures l[i] == r[i]
    {
      if i >= |a| {
        assert (a + b)[i] == b[i - |a|];
      }
    }
  }

  /** `[...chatDto.messages].reverse().map(...)`: one text record per stored
      message, newest first, each copying its message's id, timestamp and
      content and resolving its author by name. */
  function MapChatToUiChatMessages(p: Authors.Participants, chat: ChatDto): (ui: seq<UiTextMessage>)
    ensures |ui| == |chat.messages|
    ensures forall i :: 0 <= i < |ui| ==>
      var m := chat.messages[|chat.messages| - 1 - i];
      ui[i].id == m.id && ui[i].createdAt == m.createdAt && ui[i].text == m.content &&
      ui[i].kind == "text" && ui[i].author == Authors.GetAuthorByName(p, m.authorName)
  {
    ReverseAll(chat.messages);
    MapToUi(p, Reverse(chat.messages))
  }

  /** The adapter is determined by the displayed form of each message: the
      output is the per-message records in reverse storage order. */
  lemma MapChatReversesStorage(p: Authors.Participants, chat: ChatDto)
    ensures MapChatToUiChatMessages(p, chat) == Reverse(MapToUi(p, chat.messages))
  {
    var ms := chat.messages;
    ReverseAll(ms);
    ReverseAll(MapToUi(p, ms));
  }

  /** The new conversation `chatAfterPressSend` builds:
      `{ messages: [...chat.messages, message] }`. */
  function AfterPressSend(chat: ChatDto, message: ChatMessage): (r: ChatDto)
    ensures |r.messages| == |chat.messages| + 1
    ensures r.messages[..|chat.messages|] == chat.messages
    ensures r.messages[|chat.messages|] == message
  {
    ChatDto(chat.messages + [message])
  }

  /** Several sends in a row. */
  function SendAll(chat: ChatDto, sent: seq<ChatMessage>): ChatDto
    decreases |sent|
  {
    if sent == [] then chat else SendAll(AfterPressSend(chat, sent[0]), sent[1..])
  }

  /** Appending never drops or moves a message: after any number of sends
      the original conversation is still the prefix. */
  lemma {:induction false} SendsKeepPrefix(chat: ChatDto, sent: seq<ChatMessage>)
    ensures SendAll(chat, sent).messages == chat.messages + sent
    decreases |sent|
  {
    if sent != [] {
      SendsKeepPrefix(AfterPressSend(chat, sent[0]), sent[1..]);
      assert chat.messages + [sent[0]] + sent[1..] == chat.messages + sent;
    }
  }

  /** The message `handleSendPress` builds from the widget's text. */
  function NewMessage(text: string, now: int, draws: seq<Uuid.Nibble>): (m: ChatMessage)
    requires |draws| == 31
    ensures m.authorName == "me" && m.content == text && m.createdAt == now
    ensures Uuid.IsUuidV4(m.id)
  {
    ChatMessage("me", Uuid.Uuid4(draws), text, now)
  }

  const Greeting: string := "Hello! How are you?"

  /** `chatOnInitialize`: a single greeting from the therapist. */
  function ChatOnInitialize(now: int, draws: seq<Uuid.Nibble>): (chat: ChatDto)
    requires |draws| == 31
    ensures |chat.messages| == 1
    ensures chat.messages[0].authorName == "therapist" && chat.messages[0].content == Greeting
    ensures Uuid.IsUuidV4(chat.messages[0].id) && chat.messages[0].createdAt == now
  {
    ChatDto([ChatMessage("therapist", Uuid.Uuid4(draws), Greeting, now)])
  }

  /** After a send the new message is the first record shown, it is shown as
      from `me`, and the rest of the display is what it was before. */
  lemma SendShowsFirst(p: Authors.Participants, chat: ChatDto, text: string, now: int, draws: seq<Uuid.Nibble>)
    requires Authors.WellFormed(p) && |draws| == 31
    ensures var ui := MapChatToUiChatMessages(p, AfterPressSend(chat, NewMessage(text, now, draws)));
      ui[0].author == p.me && ui[0].text == text &&
      ui[1..] == MapChatToUiChatMessages(p, chat)
  {
    var m := NewMessage(text, now, draws);
    Authors.GetAuthorByNameResolves(p, m.authorName);
    assert !Authors.SpellsIgnoringCase("me", "therapist");
    var before := MapChatToUiChatMessages(p, chat);
    var ui := MapChatToUiChatMessages(p, AfterPressSend(chat, m));
    assert |ui[1..]| == |before|;
    forall i | 0 <= i < |before|
      ensures ui[1..][i] == before[i]
    {
      assert ui[i + 1] == ToUiMessage(p, chat.messages[|chat.messages| - 1 - i]);
    }
  }

  /** A reply that extends the sent conversation by one message puts that
      reply first on screen, the sent message second, then the history. */
  lemma ReplyShowsFirst(p: Authors.Participants, chat: ChatDto, sent: ChatMessage, reply: ChatMessage)
    ensures var ui := MapChatToUiChatMessages(p, AfterPressSend(AfterPressSend(chat, sent), reply));
      ui == [ToUiMessage(p, reply), ToUiMessage(p, sent)] + MapChatToUiChatMessages(p, chat)
  {
    var before := MapChatToUiChatMessages(p, chat);
    var ui := MapChatToUiChatMessages(p, AfterPressSend(AfterPressSend(chat, sent), reply));
    var expected := [ToUiMessage(p, reply), ToUiMessage(p, sent)] + before;
    assert |ui| == |expected|;
    forall i | 0 <= i < |ui|
      ensures ui[i] == expected[i]
    {
      if i >= 2 {
        assert expected[i] == before[i - 2];
      }
    }
  }

  /** The first exchange: the seed plus "hi" holds two messages, shown as
      "hi" from `me` above the therapist's greeting. */
  lemma FirstSendScenario(p: Authors.Participants, seedNow: int, seedDraws: seq<Uuid.Nibble>,
                          now: int, draws: seq<Uuid.Nibble>)
    requires Authors.WellFormed(p) && |seedDraws| == 31 && |draws| == 31
    ensures var chat := AfterPressSend(ChatOnInitialize(seedNow, seedDraws), NewMessage("hi", now, draws));
      var ui := MapChatToUiChatMessages(p, chat);
      |chat.messages| == 2 &&
      |ui| == 2 && ui[0].text == "hi" && ui[0].author == p.me &&
      ui[1].text == Greeting && ui[1].author == p.therapist
  {
    SendShowsFirst(p, ChatOnInitialize(seedNow, seedDraws), "hi", now, draws);
    Authors.GetAuthorByNameExamples(p);
  }
}
