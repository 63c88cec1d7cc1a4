/** Converting histories there and back. */
module ResponsesRoundTrips {
  import opened Prelude
  import opened ResponsesHistory

  // ---------------------------------------------------------------- chat, Responses, chat

  /** A message in the form the conversion can carry: plain text or none, calls, and the id of a
    * tool result. */
  function Carried(m: Message): Message {
    if m.role == "tool" then Message("tool", Plain(Text(m.content)), [], m.callId, "")
    else Message(m.role, ContentFor(m.content), m.calls, "", "")
  }

  predicate IsEmpty(m: Message) { m.role != "tool" && Text(m.content) == "" && m.calls == [] }

  /** The history without system messages and empty messages. */
  function Turns(messages: seq<Message>): seq<Message> {
    if messages == [] then []
    else
      var last := messages[|messages| - 1];
      Turns(messages[..|messages| - 1]) + if IsSystem(last.role) || IsEmpty(last) then [] else [Carried(last)]
  }

  /** The system texts, joined in order, as one leading system message. */
  function Preamble(messages: seq<Message>): seq<Message> {
    var texts := InstructionsOf(messages);
    if texts == [] then [] else [SystemMessage(Joined(texts))]
  }

  /** The turn's calls come back on the same turn: only assistant turns call, and one without
    * text does not follow another assistant turn. */
  predicate Regular(turns: seq<Message>, i: nat)
    requires i < |turns|
  {
    turns[i].calls == [] || turns[i].role == "tool"
    || (turns[i].role == "assistant" && (turns[i].content != Absent || i == 0 || turns[i - 1].role != "assistant"))
  }

  predicate AllRegular(turns: seq<Message>) { forall i :: 0 <= i < |turns| ==> Regular(turns, i) }

  /** What the items of one turn do to the messages so far. */
  function Replay(messages: seq<Message>, m: Message): seq<Message> {
    TranslateAll(State(messages, ""), ItemsOf(m)).messages
  }

  lemma {:induction false} CallsAttach(messages: seq<Message>, calls: seq<Call>)
    ensures var out := TranslateAll(State(messages, ""), CallItems(calls));
            && out.pending == ""
            && out.messages == (if calls == [] then messages
                                else if LastIsAssistant(messages) then
                                  messages[|messages| - 1 := messages[|messages| - 1].(
                                    calls := messages[|messages| - 1].calls + calls)]
                                else messages + [Message("assistant", Absent, calls, "", "")])
  {
    if calls == [] {
      assert CallItems(calls) == [];
      if LastIsAssistant(messages) {
        assert messages[|messages| - 1].calls + calls == messages[|messages| - 1].calls;
      }
    } else {
      var last := |calls| - 1;
      CallsAttach(messages, calls[..last]);
      assert CallItems(calls)[..last] == CallItems(calls[..last]);
      assert calls == calls[..last] + [calls[last]];
      CallAfterCalls(messages, calls[..last], calls[last]);
    }
  }

  lemma CallAfterCalls(messages: seq<Message>, calls: seq<Call>, call: Call)
    ensures var before := (if calls == [] then messages
                           else if LastIsAssistant(messages) then
                             messages[|messages| - 1 := messages[|messages| - 1].(
                               calls := messages[|messages| - 1].calls + calls)]
                           else messages + [Message("assistant", Absent, calls, "", "")]);
            WithCall(State(before, ""), call)
            == State(if LastIsAssistant(messages) then
                       messages[|messages| - 1 := messages[|messages| - 1].(
                         calls := messages[|messages| - 1].calls + (calls + [call]))]
                     else messages + [Message("assistant", Absent, calls + [call], "", "")], "")
  {
    if LastIsAssistant(messages) {
      var had := messages[|messages| - 1].calls;
      assert had + (calls + [call]) == had + calls + [call];
      if calls == [] {
        assert had + calls == had;
      }
    } else if calls == [] {
      assert calls + [call] == [call];
    } else {
      var added := messages + [Message("assistant", Absent, calls, "", "")];
      assert added[|added| - 1 := Message("assistant", Absent, calls + [call], "", "")]
             == messages + [Message("assistant", Absent, calls + [call], "", "")];
    }
  }

  /** One turn replayed: its text starts a message, its calls join the last assistant message. */
  lemma ReplayIs(messages: seq<Message>, m: Message)
    requires !IsSystem(m.role)
    ensures TranslateAll(State(messages, ""), ItemsOf(m)).pending == ""
    ensures m.role == "tool" ==> Replay(messages, m) == messages + [Carried(m)]
    ensures m.role != "tool" ==>
              var first := Message(m.role, ContentFor(m.content), [], "", "");
              var texted := if Text(m.content) != "" then messages + [first] else messages;
              Replay(messages, m) == TranslateAll(State(texted, ""), CallItems(m.calls)).messages
  {
    if m.role == "tool" {
      TranslateOne(State(messages, ""), OutputItem(false, m.callId, Plain(Text(m.content))));
    } else if Text(m.content) != "" {
      var item := MessageItem(m.role, Plain(Text(m.content)));
      TranslateOne(State(messages, ""), item);
      var texted := messages + [Message(m.role, ContentFor(m.content), [], "", "")];
      assert Translate(State(messages, ""), item) == State(texted, "");
      TranslateAppends(State(messages, ""), [item], CallItems(m.calls));
      CallsAttach(texted, m.calls);
    } else {
      assert [] + CallItems(m.calls) == CallItems(m.calls);
      CallsAttach(messages, m.calls);
    }
  }

  lemma TranslateOne(s: State, item: Item)
    ensures TranslateAll(s, [item]) == Translate(s, item) && TranslateAll(s, []) == s
  {
    hide Translate;
    assert [item][..0] == [];
  }

  /** A regular turn comes back as it was. */
  lemma RegularReplays(messages: seq<Message>, m: Message)
    requires !IsSystem(m.role) && !IsEmpty(m)
    requires m.role == "tool" || m.calls == []
             || (m.role == "assistant" && (Text(m.content) != "" || !LastIsAssistant(messages)))
    ensures Replay(messages, m) == messages + [Carried(m)]
  {
    ReplayIs(messages, m);
    hide Replay, TranslateAll;
    if m.role != "tool" {
      if Text(m.content) != "" {
        var first := Message(m.role, ContentFor(m.content), [], "", "");
        CallsAttach(messages + [first], m.calls);
        LastReplaced(messages, first, first.(calls := first.calls + m.calls));
        assert [] + m.calls == m.calls;
      } else {
        CallsAttach(messages, m.calls);
      }
    }
  }

  lemma LastReplaced(messages: seq<Message>, m: Message, n: Message)
    ensures (messages + [m])[|messages + [m]| - 1 := n] == messages + [n]
  {
  }

  predicate Filled(m: Message) { m.role == "tool" || IsSystem(m.role) || m.content != Absent || m.calls != [] }

  predicate AllFilled(messages: seq<Message>) { forall i :: 0 <= i < |messages| ==> Filled(messages[i]) }

  lemma MoreFilled(messages: seq<Message>, m: Message)
    requires AllFilled(messages) && Filled(m)
    ensures AllFilled(messages + [m]) && (messages != [] ==> AllFilled(messages[|messages| - 1 := m]))
  {
    hide Filled;
  }

  lemma ReplayFills(messages: seq<Message>, m: Message)
    requires !IsSystem(m.role) && AllFilled(messages)
    ensures AllFilled(Replay(messages, m))
  {
    ReplayIs(messages, m);
    hide Replay, TranslateAll, AllFilled;
    if m.role == "tool" {
      MoreFilled(messages, Carried(m));
    } else {
      var first := Message(m.role, ContentFor(m.content), [], "", "");
      var texted := if Text(m.content) != "" then messages + [first] else messages;
      if Text(m.content) != "" {
        MoreFilled(messages, first);
      }
      CallsAttach(texted, m.calls);
      if m.calls != [] {
        MoreFilled(texted, Message("assistant", Absent, m.calls, "", ""));
        if LastIsAssistant(texted) {
          LastFilled(texted);
          var last := texted[|texted| - 1];
          MoreFilled(texted, last.(calls := last.calls + m.calls));
        }
      }
    }
  }

  lemma LastFilled(messages: seq<Message>)
    requires AllFilled(messages) && messages != []
    ensures Filled(messages[|messages| - 1])
  {
  }

  /** A turn that comes back as it was is regular, and what preceded it came back too. */
  lemma OnlyRegularReplays(messages: seq<Message>, m: Message, before: seq<Message>)
    requires !IsSystem(m.role) && !IsEmpty(m) && AllFilled(messages)
    requires Replay(messages, m) == before + [Carried(m)]
    ensures messages == before
    ensures m.role == "tool" || m.calls == []
            || (m.role == "assistant" && (Text(m.content) != "" || !LastIsAssistant(messages)))
  {
    ReplayIs(messages, m);
    hide Replay, TranslateAll;
    if m.role == "tool" {
      assert messages == (messages + [Carried(m)])[..|messages|];
    } else {
      var texted := if Text(m.content) != "" then messages + [Message(m.role, ContentFor(m.content), [], "", "")]
                    else messages;
      CallsAttach(texted, m.calls);
      LastAgrees(texted, m, before, messages);
    }
  }

  lemma LastAgrees(texted: seq<Message>, m: Message, before: seq<Message>, messages: seq<Message>)
    requires m.role != "tool" && !IsSystem(m.role) && !IsEmpty(m) && AllFilled(messages)
    requires texted == if Text(m.content) != "" then messages
             + [Message(m.role, ContentFor(m.content), [], "", "")] else messages
    requires before + [Carried(m)]
             == (if m.calls == [] then texted
                 else if LastIsAssistant(texted) then
                   texted[|texted| - 1 := texted[|texted| - 1].(calls := texted[|texted| - 1].calls + m.calls)]
                 else texted + [Message("assistant", Absent, m.calls, "", "")])
    ensures messages == before
    ensures m.calls == [] || (m.role == "assistant" && (Text(m.content) != "" || !LastIsAssistant(messages)))
  {
    var after := before + [Carried(m)];
    assert after[|after| - 1] == Carried(m) && after[..|after| - 1] == before;
    if m.calls != [] && !LastIsAssistant(texted) {
      assert after[..|after| - 1] == texted;
    } else if m.calls == [] || Text(m.content) != "" {
      assert after[..|after| - 1] == texted[..|texted| - 1] == messages;
    }
  }

  function Restored(start: seq<Message>, messages: seq<Message>): seq<Message> {
    if messages == [] then start
    else
      var front, last := Restored(start, messages[..|messages| - 1]), messages[|messages| - 1];
      if IsSystem(last.role) then front else Replay(front, last)
  }

  lemma {:induction false} InputRestores(start: seq<Message>, messages: seq<Message>)
    ensures TranslateAll(State(start, ""), InputOf(messages)) == State(Restored(start, messages), "")
  {
    if messages != [] {
      hide TranslateAll, ItemsOf;
      var front, last := messages[..|messages| - 1], messages[|messages| - 1];
      InputRestores(start, front);
      TranslateAppends(State(start, ""), InputOf(front), ItemsOf(last));
      ItemsAre(last);
      TranslateOne(State(Restored(start, front), ""), OtherItem);
      if !IsSystem(last.role) {
        ReplayIs(Restored(start, front), last);
      }
    } else {
      TranslateOne(State(start, ""), OtherItem);
    }
  }

  lemma {:induction false} RestoredIsFilled(start: seq<Message>, messages: seq<Message>)
    requires AllFilled(start)
    ensures AllFilled(Restored(start, messages))
  {
    hide Replay, AllFilled;
    if messages != [] {
      var front, last := messages[..|messages| - 1], messages[|messages| - 1];
      RestoredIsFilled(start, front);
      if !IsSystem(last.role) {
        ReplayFills(Restored(start, front), last);
      }
    }
  }

  lemma EmptyReplays(messages: seq<Message>, m: Message)
    requires IsEmpty(m) && !IsSystem(m.role)
    ensures Replay(messages, m) == messages
  {
    assert ItemsOf(m) == [];
  }

  lemma RegularGrows(turns: seq<Message>, turn: Message)
    ensures AllRegular(turns + [turn]) <==> AllRegular(turns) && Regular(turns + [turn], |turns|)
  {
    var more := turns + [turn];
    assert forall i :: 0 <= i < |turns| ==> more[i] == turns[i];
    assert forall i :: 0 <= i < |turns| ==> (Regular(more, i) <==> Regular(turns, i));
  }

  lemma LastOfBoth(start: seq<Message>, turns: seq<Message>)
    requires !LastIsAssistant(start)
    ensures LastIsAssistant(start + turns) <==> turns != [] && turns[|turns| - 1].role == "assistant"
  {
    if turns == [] {
      assert start + turns == start;
    }
  }

  /** Everything after the preamble is restored exactly when every turn is regular. */
  lemma {:induction false} RestoredIffRegular(start: seq<Message>, messages: seq<Message>)
    requires AllFilled(start) && !LastIsAssistant(start)
    ensures Restored(start, messages) == start + Turns(messages) <==> AllRegular(Turns(messages))
  {
    if messages == [] {
      assert start + [] == start;
    } else {
      var front, last := messages[..|messages| - 1], messages[|messages| - 1];
      RestoredIffRegular(start, front);
      var before, turns := Restored(start, front), Turns(front);
      if IsSystem(last.role) {
        assert turns + [] == turns;
      } else if IsEmpty(last) {
        assert turns + [] == turns;
        EmptyReplays(before, last);
      } else {
        RestoredIsFilled(start, front);
        hide Replay, AllFilled, AllRegular, Restored;
        RestoredSteps(start, messages);
        RegularGrows(turns, Carried(last));
        LastOfBoth(start, turns);
        assert start + (turns + [Carried(last)]) == (start + turns) + [Carried(last)];
        CarriedIs(last);
        if Restored(start, messages) == start + Turns(messages) {
          OnlyRegularReplays(before, last, start + turns);
        }
        if AllRegular(Turns(messages)) {
          RegularReplays(before, last);
        }
      }
    }
  }

  lemma RestoredSteps(start: seq<Message>, messages: seq<Message>)
    requires messages != [] && !IsSystem(messages[|messages| - 1].role)
    ensures Restored(start, messages) == Replay(Restored(start, messages[..|messages| - 1]), messages[|messages| - 1])
  {
    hide Replay;
  }

  lemma CarriedIs(m: Message)
    ensures Carried(m).role == m.role && (m.role != "tool" ==> Carried(m).calls == m.calls)
    ensures m.role != "tool" ==> (Carried(m).content == Absent <==> Text(m.content) == "")
  {
  }

  lemma ForChatRestores(messages: seq<Message>)
    ensures ForChat(FromChat(messages)) == Restored(Preamble(messages), messages)
  {
    hide TranslateAll, Restored, InputOf, InstructionsOf, Joined;
    InputRestores(Preamble(messages), messages);
  }

  /** A chat history converted to Responses input and back is restored - system texts joined into
    * one leading system message, empty messages dropped, calls regrouped onto their turns -
    * exactly when calls are made by assistant turns only and no calling turn without text
    * directly follows another assistant turn. */
  lemma ChatRoundTrip(messages: seq<Message>)
    ensures ForChat(FromChat(messages)) == Preamble(messages) + Turns(messages) <==> AllRegular(Turns(messages))
  {
    hide ForChat, FromChat, Restored, Turns, AllRegular, InstructionsOf, Joined;
    var start := Preamble(messages);
    assert AllFilled(start) && !LastIsAssistant(start);
    ForChatRestores(messages);
    RestoredIffRegular(start, messages);
  }

  /** A calling turn without text after another assistant turn is merged into it. */
  lemma BareCallsMerge(text: string, call: Call)
    requires text != ""
    ensures var hi, bare := Message("assistant", Plain(text), [], "", ""), Message("assistant", Absent, [call], "", "");
            ForChat(FromChat([hi, bare])) == [hi.(calls := [call])]
  {
    var hi, bare := Message("assistant", Plain(text), [], "", ""), Message("assistant", Absent, [call], "", "");
    RegularReplays([], hi);
    hide ForChat, FromChat, TranslateAll, Replay, InstructionsOf, Restored;
    NoInstructions(hi, bare);
    ForChatRestores([hi, bare]);
    BareReplays(hi, bare, call);
    RestoredPair(hi, bare);
    assert [] + [hi] == [hi];
  }

  lemma BareReplays(hi: Message, bare: Message, call: Call)
    requires hi.role == "assistant" && hi.calls == [] && bare == Message("assistant", Absent, [call], "", "")
    ensures Replay([hi], bare) == [hi.(calls := [call])]
  {
    ReplayIs([hi], bare);
    CallsAttach([hi], [call]);
    hide TranslateAll, Replay;
    assert [] + [call] == [call];
    assert [hi][0 := hi.(calls := [call])] == [hi.(calls := [call])];
  }

  lemma NoInstructions(a: Message, b: Message)
    requires !IsSystem(a.role) && !IsSystem(b.role)
    ensures InstructionsOf([a, b]) == []
  {
    hide InputOf, InstructionsOf;
    AppendedMessage([], a);
    AppendedMessage([a], b);
    NothingIn();
    assert [] + [a] == [a] && [a] + [b] == [a, b];
  }

  lemma NothingIn()
    ensures InstructionsOf([]) == [] && InputOf([]) == []
  {
  }

  lemma RestoredPair(a: Message, b: Message)
    requires !IsSystem(a.role) && !IsSystem(b.role)
    ensures Restored([], [a, b]) == Replay(Replay([], a), b)
  {
    RestoredSteps([], [a, b]);
    RestoredSteps([], [a]);
    NothingRestored();
    hide Replay, Restored;
    assert [a, b][..1] == [a] && [a][..0] == [];
  }

  lemma NothingRestored()
    ensures Restored([], []) == []
  {
  }

  // ---------------------------------------------------------------- Responses, chat, Responses

  /** What survives of an item: reasoning, namespaced calls and unknown items do not, and texts
    * become plain. */
  function PlainItems(item: Item): seq<Item> {
    match item
    case MessageItem(role, content) =>
      if IsSystem(role) then []
      else if role == "tool" then (if Text(content) == "" then [] else [OutputItem(false, "", Plain(Text(content)))])
      else if Text(content) == "" then []
      else [MessageItem(role, Plain(Text(content)))]
    case CallItem(namespaced, call) => if namespaced then [] else [CallItem(false, call)]
    case OutputItem(namespaced, callId, output) =>
      if namespaced then [] else [OutputItem(false, callId, Plain(Text(output)))]
    case ReasoningItem(_) => []
    case OtherItem => []
  }

  function AllPlainItems(items: seq<Item>): seq<Item> {
    if items == [] then [] else AllPlainItems(items[..|items| - 1]) + PlainItems(items[|items| - 1])
  }

  function SystemTexts(items: seq<Item>): seq<string> {
    if items == [] then []
    else
      SystemTexts(items[..|items| - 1]) + SystemText(items[|items| - 1])
  }

  lemma AppendedMessage(messages: seq<Message>, m: Message)
    ensures InputOf(messages + [m]) == InputOf(messages) + ItemsOf(m)
    ensures InstructionsOf(messages + [m]) == InstructionsOf(messages) + InstructionOf(m)
  {
    hide ItemsOf, InstructionOf;
    assert (messages + [m])[..|messages|] == messages;
  }

  /** What each message adds to the request: the text of a system or developer message, if it has one,
    * to the instructions; a tool message an output; and any other its text, if it has one, and its
    * calls. */
  lemma MessagesBecome(messages: seq<Message>, m: Message)
    ensures var (was, now) := (InputOf(messages), InputOf(messages + [m]));
            var system := m.role == "system" || m.role == "developer";
            && InstructionsOf(messages + [m])
               == InstructionsOf(messages) + (if system && Text(m.content) != "" then [Text(m.content)] else [])
            && (system ==> now == was)
            && (m.role == "tool" ==> now == was + [OutputItem(false, m.callId, Plain(Text(m.content)))])
            && (!system && m.role != "tool" ==>
                  var text := if Text(m.content) != "" then [MessageItem(m.role, Plain(Text(m.content)))] else [];
                  && |now| == |was| + |text| + |m.calls| && now[..|was| + |text|] == was + text
                  && forall i :: 0 <= i < |m.calls| ==> now[|was| + |text| + i] == CallItem(false, m.calls[i]))
  {
    AppendedMessage(messages, m);
    ItemsAre(m);
    hide Text, InputOf, InstructionsOf, ItemsOf, InstructionOf;
  }

  lemma PatchedMessage(messages: seq<Message>, call: Call, reasoning: string)
    requires LastIsAssistant(messages)
    ensures var last := messages[|messages| - 1];
            var patched := messages[|messages| - 1 := last.(calls := last.calls + [call], reasoning := reasoning)];
            && InputOf(patched) == InputOf(messages) + [CallItem(false, call)]
            && InstructionsOf(patched) == InstructionsOf(messages)
  {
    var front, last := messages[..|messages| - 1], messages[|messages| - 1];
    var more := last.(calls := last.calls + [call], reasoning := reasoning);
    assert messages == front + [last];
    assert messages[|messages| - 1 := more] == front + [more];
    hide InputOf, InstructionsOf, ItemsOf, InstructionOf;
    AppendedMessage(front, last);
    AppendedMessage(front, more);
    OneMoreCall(last, call, reasoning);
    assert InputOf(front) + (ItemsOf(last) + [CallItem(false, call)]) == InputOf(front) + ItemsOf(last)
           + [CallItem(false, call)];
  }

  lemma OneMoreCall(last: Message, call: Call, reasoning: string)
    requires last.role == "assistant"
    ensures var more := last.(calls := last.calls + [call], reasoning := reasoning);
            ItemsOf(more) == ItemsOf(last) + [CallItem(false, call)] && InstructionOf(more) == InstructionOf(last)
  {
    hide Text;
    assert CallItems(last.calls + [call]) == CallItems(last.calls) + [CallItem(false, call)];
  }

  lemma NewMessageItems(role: string, content: Content, reasoning: string)
    ensures var m := Message(ChatRole(role), ContentFor(content), [], "", reasoning);
            && ItemsOf(m) == PlainItems(MessageItem(role, content))
            + (if role == "tool" && Text(content) == "" then ItemsOf(m) else [])
            && InstructionOf(m) == if IsSystem(role) && Text(content) != "" then [Text(content)] else []
  {
    assert CallItems([]) == [];
    hide PartsText;
  }

  lemma MessageComesBack(s: State, role: string, content: Content)
    ensures InputOf(WithMessage(s, role, content).messages) == InputOf(s.messages)
            + PlainItems(MessageItem(role, content))
    ensures InstructionsOf(WithMessage(s, role, content).messages)
            == InstructionsOf(s.messages) + if IsSystem(role) && Text(content) != "" then [Text(content)] else []
  {
    var reasoning := if ChatRole(role) == "assistant" && s.pending != "" then s.pending else "";
    var m := Message(ChatRole(role), ContentFor(content), [], "", reasoning);
    hide InputOf, InstructionsOf, Text, ItemsOf, InstructionOf;
    AppendedMessage(s.messages, m);
    NewMessageItems(role, content, reasoning);
    NothingPlain(role, content);
  }

  lemma NothingPlain(role: string, content: Content)
    ensures Text(content) == "" ==> PlainItems(MessageItem(role, content)) == []
  {
    hide Text;
  }

  lemma CallComesBack(s: State, call: Call)
    ensures InputOf(WithCall(s, call).messages) == InputOf(s.messages) + [CallItem(false, call)]
    ensures InstructionsOf(WithCall(s, call).messages) == InstructionsOf(s.messages)
  {
    hide InputOf, InstructionsOf;
    if LastIsAssistant(s.messages) {
      var last := s.messages[|s.messages| - 1];
      PatchedMessage(s.messages, call, if s.pending != "" then s.pending else last.reasoning);
    } else {
      AppendedMessage(s.messages, Message("assistant", Absent, [call], "", s.pending));
      assert CallItems([call]) == [CallItem(false, call)];
    }
  }

  lemma OutputComesBack(messages: seq<Message>, callId: string, output: Content)
    ensures var more := messages + [Message("tool", Plain(Text(output)), [], callId, "")];
            && InputOf(more) == InputOf(messages) + [OutputItem(false, callId, Plain(Text(output)))]
            && InstructionsOf(more) == InstructionsOf(messages)
  {
    hide InputOf, InstructionsOf;
    AppendedMessage(messages, Message("tool", Plain(Text(output)), [], callId, ""));
  }

  function SystemText(item: Item): seq<string> {
    if item.MessageItem? && IsSystem(item.role) && Text(item.content) != "" then [Text(item.content)] else []
  }

  /** Translating one item adds its plain form to what converting back would yield. */
  lemma ItemComesBack(s: State, item: Item)
    ensures InputOf(Translate(s, item).messages) == InputOf(s.messages) + PlainItems(item)
    ensures InstructionsOf(Translate(s, item).messages) == InstructionsOf(s.messages) + SystemText(item)
  {
    hide InputOf, InstructionsOf, WithMessage, WithCall, Text;
    match item
    case MessageItem(role, content) => MessageComesBack(s, role, content);
    case CallItem(_, call) => CallComesBack(s, call);
    case OutputItem(_, callId, output) => OutputComesBack(s.messages, callId, output);
    case ReasoningItem(_) =>
    case OtherItem =>
  }

  lemma {:induction false} ItemsComeBack(s: State, items: seq<Item>)
    ensures InputOf(TranslateAll(s, items).messages) == InputOf(s.messages) + AllPlainItems(items)
    ensures InstructionsOf(TranslateAll(s, items).messages) == InstructionsOf(s.messages) + SystemTexts(items)
  {
    hide InputOf, InstructionsOf, Translate, PlainItems, SystemText;
    if items != [] {
      ItemsComeBack(s, items[..|items| - 1]);
      ItemComesBack(TranslateAll(s, items[..|items| - 1]), items[|items| - 1]);
    }
  }

  /** For every request, converting its input to chat and back yields the plain items of the
    * input in order, with the nonempty system texts, instructions first, joined as instructions. */
  lemma ItemsRoundTrip(r: Request)
    ensures var texts := (if r.instructions.GetOr("") != "" then [r.instructions.value] else []) + SystemTexts(r.input);
            FromChat(ForChat(r)) == Request(if texts == [] then None else Some(Joined(texts)), AllPlainItems(r.input))
  {
    var start := if r.instructions.Some? then [SystemMessage(r.instructions.value)] else [];
    StartInput(r);
    hide InputOf, InstructionsOf, TranslateAll, Joined, AllPlainItems, SystemTexts;
    ItemsComeBack(State(start, ""), r.input);
  }

  lemma StartInput(r: Request)
    ensures var start := if r.instructions.Some? then [SystemMessage(r.instructions.value)] else [];
            InputOf(start) == []
            && InstructionsOf(start) == if r.instructions.GetOr("") != "" then [r.instructions.value] else []
  {
    if r.instructions.Some? {
      assert [SystemMessage(r.instructions.value)][..0] == [];
    }
  }
}
