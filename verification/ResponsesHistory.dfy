/** Chat histories and Responses inputs: text, tool calls, tool results and reasoning. */
module ResponsesHistory {
  import opened Prelude

  datatype Part = TextPart(text: string) | OtherPart

  datatype Content = Absent | Plain(text: string) | Parts(parts: seq<Part>)

  function PartsText(parts: seq<Part>): string {
    if parts == [] then ""
    else PartsText(parts[..|parts| - 1]) + if parts[|parts| - 1].TextPart? then parts[|parts| - 1].text else ""
  }

  function Text(c: Content): string {
    match c
    case Absent => ""
    case Plain(text) => text
    case Parts(parts) => PartsText(parts)
  }

  datatype Call = Call(id: string, name: string, arguments: string)

  /** A chat message; `callId` is read from tool messages only. */
  datatype Message = Message(role: string, content: Content, calls: seq<Call>, callId: string, reasoning: string)

  datatype Item =
    | MessageItem(role: string, content: Content)
    | CallItem(namespaced: bool, call: Call)
    | OutputItem(namespaced: bool, callId: string, output: Content)
    | ReasoningItem(text: string)
    | OtherItem

  // ---------------------------------------------------------------- chat to Responses

  predicate IsSystem(role: string) { role == "system" || role == "developer" }

  function CallItems(calls: seq<Call>): (items: seq<Item>)
    ensures |items| == |calls|
  {
    seq(|calls|, i requires 0 <= i < |calls| => CallItem(false, calls[i]))
  }

  function ItemsOf(m: Message): seq<Item> {
    if IsSystem(m.role) then []
    else if m.role == "tool" then [OutputItem(false, m.callId, Plain(Text(m.content)))]
    else (if Text(m.content) != "" then [MessageItem(m.role, Plain(Text(m.content)))] else []) + CallItems(m.calls)
  }

  function InputOf(messages: seq<Message>): seq<Item> {
    if messages == [] then [] else InputOf(messages[..|messages| - 1]) + ItemsOf(messages[|messages| - 1])
  }

  function InstructionOf(m: Message): seq<string> {
    if IsSystem(m.role) && Text(m.content) != "" then [Text(m.content)] else []
  }

  function InstructionsOf(messages: seq<Message>): seq<string> {
    if messages == [] then [] else InstructionsOf(messages[..|messages| - 1]) + InstructionOf(messages[|messages| - 1])
  }

  function Joined(texts: seq<string>): string {
    if texts == [] then ""
    else if |texts| == 1 then texts[0]
    else Joined(texts[..|texts| - 1]) + "\n\n" + texts[|texts| - 1]
  }

  datatype Request = Request(instructions: Option<string>, input: seq<Item>)

  function FromChat(messages: seq<Message>): Request {
    var texts := InstructionsOf(messages);
    Request(if texts == [] then None else Some(Joined(texts)), InputOf(messages))
  }

  /** Splits a chat history into instructions and input items. */
  method PrepareFromChat(messages: seq<Message>) returns (r: Request)
    ensures r == FromChat(messages)
  {
    hide ItemsOf, InstructionOf;
    var input: seq<Item>, instructions: seq<string> := [], [];
    for i := 0 to |messages|
      invariant input == InputOf(messages[..i]) && instructions == InstructionsOf(messages[..i])
    {
      var m := messages[i];
      assert messages[..i + 1][..i] == messages[..i];
      var text := Text(m.content);
      ItemsAre(m);
      if m.role == "system" || m.role == "developer" {
        if text != "" {
          instructions := instructions + [text];
        }
      } else if m.role == "tool" {
        input := input + [OutputItem(false, m.callId, Plain(text))];
      } else {
        var front := if text != "" then [MessageItem(m.role, Plain(text))] else [];
        assert input + front + CallItems(m.calls) == input + (front + CallItems(m.calls));
        input := input + front;
        var calls := PushCalls(m.calls);
        input := input + calls;
      }
    }
    assert messages[..|messages|] == messages;
    return Request(if instructions == [] then None else Some(Joined(instructions)), input);
  }

  lemma ItemsAre(m: Message)
    ensures IsSystem(m.role) ==>
              ItemsOf(m) == [] && InstructionOf(m) == if Text(m.content) != "" then [Text(m.content)] else []
    ensures !IsSystem(m.role) ==> InstructionOf(m) == []
    ensures m.role == "tool" ==> ItemsOf(m) == [OutputItem(false, m.callId, Plain(Text(m.content)))]
    ensures !IsSystem(m.role) && m.role != "tool" ==>
              ItemsOf(m) == (if Text(m.content) != "" then [MessageItem(m.role, Plain(Text(m.content)))] else [])
                  + CallItems(m.calls)
  {
  }

  method PushCalls(calls: seq<Call>) returns (items: seq<Item>)
    ensures items == CallItems(calls)
  {
    items := [];
    for i := 0 to |calls|
      invariant items == CallItems(calls[..i])
    {
      items := items + [CallItem(false, calls[i])];
    }
    assert calls[..|calls|] == calls;
  }

  // ---------------------------------------------------------------- Responses to chat

  /** The messages so far and the reasoning that waits for the next assistant turn. */
  datatype State = State(messages: seq<Message>, pending: string)

  function ChatRole(role: string): string { if role == "developer" then "system" else role }

  function ContentFor(c: Content): Content { if Text(c) == "" then Absent else Plain(Text(c)) }

  function LastIsAssistant(messages: seq<Message>): bool {
    messages != [] && messages[|messages| - 1].role == "assistant"
  }

  function WithMessage(s: State, role: string, content: Content): State {
    var r, c := ChatRole(role), ContentFor(content);
    var carries := r == "assistant" && s.pending != "";
    State(if carries || c != Absent then s.messages + [Message(r, c, [], "", if carries then s.pending else "")]
          else s.messages,
          if carries || r != "assistant" then "" else s.pending)
  }

  function WithCall(s: State, call: Call): State {
    if LastIsAssistant(s.messages) then
      var last := s.messages[|s.messages| - 1];
      var reasoning := if s.pending != "" then s.pending else last.reasoning;
      State(s.messages[|s.messages| - 1 := last.(calls := last.calls + [call], reasoning := reasoning)], "")
    else State(s.messages + [Message("assistant", Absent, [call], "", s.pending)], "")
  }

  function Translate(s: State, item: Item): State {
    match item
    case MessageItem(role, content) => WithMessage(s, role, content)
    case CallItem(namespaced, call) => if namespaced then s.(pending := "") else WithCall(s, call)
    case OutputItem(namespaced, callId, output) =>
      State(if namespaced then s.messages else s.messages + [Message("tool", Plain(Text(output)), [], callId, "")], "")
    case ReasoningItem(text) => s.(pending := if text != "" then s.pending + text else "")
    case OtherItem => s.(pending := "")
  }

  function TranslateAll(s: State, items: seq<Item>): State {
    if items == [] then s else Translate(TranslateAll(s, items[..|items| - 1]), items[|items| - 1])
  }

  /** The messages that the items add up to. */
  function ChatOf(before: seq<Message>, items: seq<Item>): seq<Message> {
    TranslateAll(State(before, ""), items).messages
  }

  function SystemMessage(text: string): Message { Message("system", Plain(text), [], "", "") }

  function ForChat(r: Request): seq<Message> {
    ChatOf(if r.instructions.Some? then [SystemMessage(r.instructions.value)] else [], r.input)
  }

  /** Rebuilds chat messages from input items, patching calls and reasoning onto the assistant
    * turn they belong to. */
  method TranslateInputItems(items: seq<Item>, before: seq<Message>) returns (messages: seq<Message>)
    ensures messages == ChatOf(before, items)
  {
    messages := before;
    var pending := "";
    for i := 0 to |items|
      invariant State(messages, pending) == TranslateAll(State(before, ""), items[..i])
    {
      assert items[..i + 1][..i] == items[..i];
      match items[i] {
        case MessageItem(itemRole, itemContent) =>
          var role := ChatRole(itemRole);
          var content := ContentFor(itemContent);
          var message := Message(role, content, [], "", "");
          var carries := false;
          if role == "assistant" && pending != "" {
            message := message.(reasoning := pending);
            pending := "";
            carries := true;
          } else if role != "assistant" {
            pending := "";
          }
          if carries || content != Absent {
            messages := messages + [message];
          }
        case CallItem(namespaced, call) =>
          if namespaced {
            pending := "";
          } else if LastIsAssistant(messages) {
            var previous := messages[|messages| - 1];
            if pending != "" {
              previous := previous.(reasoning := pending);
              pending := "";
            }
            messages := messages[|messages| - 1 := previous.(calls := previous.calls + [call])];
          } else {
            messages := messages + [Message("assistant", Absent, [call], "", pending)];
            pending := "";
          }
        case OutputItem(namespaced, callId, output) =>
          pending := "";
          if !namespaced {
            messages := messages + [Message("tool", Plain(Text(output)), [], callId, "")];
          }
        case ReasoningItem(text) =>
          if text != "" {
            pending := pending + text;
          } else {
            pending := "";
          }
        case OtherItem => pending := "";
      }
    }
    assert items[..|items|] == items;
  }

  method PrepareForChat(r: Request) returns (messages: seq<Message>)
    ensures messages == ForChat(r)
  {
    messages := [];
    if r.instructions.Some? {
      messages := messages + [SystemMessage(r.instructions.value)];
      assert messages == [SystemMessage(r.instructions.value)];
    }
    messages := TranslateInputItems(r.input, messages);
  }

  lemma {:induction false} TranslateAppends(s: State, a: seq<Item>, b: seq<Item>)
    ensures TranslateAll(s, a + b) == TranslateAll(TranslateAll(s, a), b)
  {
    hide Translate;
    if b == [] {
      assert a + b == a;
    } else {
      TranslateAppends(s, a, b[..|b| - 1]);
      assert (a + b)[..|a + b| - 1] == a + b[..|b| - 1];
    }
  }
}
