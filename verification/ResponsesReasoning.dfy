/** Which assistant turn a reasoning text ends up on. */
module ResponsesReasoning {
  import opened Prelude
  import opened ResponsesHistory

  /** The texts of the nonempty reasoning items that the sequence ends with. */
  function Waiting(items: seq<Item>): string {
    var n := |items|;
    if n > 0 && items[n - 1].ReasoningItem? && items[n - 1].text != "" then Waiting(items[..n - 1]) + items[n - 1].text
    else ""
  }

  lemma {:induction false} WaitingIsPending(before: seq<Message>, items: seq<Item>)
    ensures TranslateAll(State(before, ""), items).pending == Waiting(items)
  {
    if items != [] {
      WaitingIsPending(before, items[..|items| - 1]);
      hide Text;
    }
  }

  predicate EndsWithAssistant(messages: seq<Message>) {
    |messages| > 0 && messages[|messages| - 1].role == "assistant"
  }

  /** What each item adds to the messages of the items before it. A message of the assistant is given
    * the reasoning directly before it, and is there for that alone if it has no text. A call joins
    * the assistant turn that comes last, or begins one; it leaves there the reasoning directly before
    * the call, if there is any, in place of an older one. Everything else gets no reasoning, and what
    * is not directly followed by such a message or call is lost. */
  lemma ReasoningLands(before: seq<Message>, items: seq<Item>, i: nat)
    requires i < |items|
    ensures var (was, now) := (ChatOf(before, items[..i]), ChatOf(before, items[..i + 1]));
            var (item, reasoning) := (items[i], Waiting(items[..i]));
            && (item.MessageItem? && item.role == "assistant" ==>
                  var content := if Text(item.content) == "" then Absent else Plain(Text(item.content));
                  now == if reasoning == "" && content == Absent then was
                         else was + [Message("assistant", content, [], "", reasoning)])
            && (item.MessageItem? && item.role != "assistant" ==>
                  now == if Text(item.content) == "" then was
                         else
                           was + [Message(if item.role == "developer" then "system" else item.role,
                                          Plain(Text(item.content)), [], "", "")])
            && (item.CallItem? && !item.namespaced && EndsWithAssistant(was) ==>
                  var turn := was[|was| - 1];
                  now == was[..|was| - 1] + [turn.(calls := turn.calls + [item.call],
                                                   reasoning := if reasoning != "" then reasoning else turn.reasoning)])
            && (item.CallItem? && !item.namespaced && !EndsWithAssistant(was) ==>
                  now == was + [Message("assistant", Absent, [item.call], "", reasoning)])
            && (item.OutputItem? && !item.namespaced ==>
                  now == was + [Message("tool", Plain(Text(item.output)), [], item.callId, "")])
            && (item.ReasoningItem? || item.OtherItem? ==> now == was)
            && ((item.CallItem? || item.OutputItem?) && item.namespaced ==> now == was)
  {
    WaitingIsPending(before, items[..i]);
    assert items[..i + 1][..i] == items[..i];
    hide Text, Waiting;
  }

  /** A turn that another message follows does not change any more, and the last one only takes on
    * calls and their reasoning. */
  lemma {:induction false} TurnsStay(before: seq<Message>, items: seq<Item>, i: nat, k: nat)
    requires i <= |items| && k < |ChatOf(before, items[..i])|
    ensures var (was, now) := (ChatOf(before, items[..i]), ChatOf(before, items));
            && |now| >= |was|
            && (k < |was| - 1 ==> now[k] == was[k])
            && now[k].role == was[k].role && now[k].content == was[k].content && now[k].callId == was[k].callId
            && was[k].calls <= now[k].calls && (was[k].role != "assistant" ==> now[k] == was[k])
    decreases |items| - i
  {
    if i == |items| {
      assert items[..i] == items;
    } else {
      ReasoningLands(before, items, i);
      hide ChatOf, Text, Waiting;
      TurnsStay(before, items, i + 1, k);
    }
  }

  // ---------------------------------------------------------------- texts

  /** The text of a list of parts is that of its text parts, in order. */
  lemma {:induction false} PartsAddUp(a: seq<Part>, b: seq<Part>)
    ensures PartsText(a + b) == PartsText(a) + PartsText(b)
  {
    if b == [] {
      assert a + b == a;
    } else {
      var front, last := b[..|b| - 1], b[|b| - 1];
      PartsAddUp(a, front);
      assert (a + b)[..|a + b| - 1] == a + front && (a + b)[|a + b| - 1] == last;
      var text := if last.TextPart? then last.text else "";
      assert PartsText(a) + (PartsText(front) + text) == PartsText(a) + PartsText(front) + text;
    }
  }

  lemma PartSays(text: string)
    ensures PartsText([TextPart(text)]) == text && PartsText([OtherPart]) == ""
  {
    assert [TextPart(text)][..0] == [] && [OtherPart][..0] == [];
  }

  /** Texts are joined with an empty line between any two that are next to each other. */
  lemma {:induction false} JoinedAddUp(a: seq<string>, b: seq<string>, text: string)
    ensures Joined([text]) == text
    ensures a != [] && b != [] ==> Joined(a + b) == Joined(a) + "\n\n" + Joined(b)
  {
    if a != [] && |b| == 1 {
      assert (a + b)[..|a + b| - 1] == a;
    } else if a != [] && |b| > 1 {
      JoinedAddUp(a, b[..|b| - 1], text);
      assert (a + b)[..|a + b| - 1] == a + b[..|b| - 1];
      assert Joined(a + b) == Joined(a + b[..|b| - 1]) + "\n\n" + b[|b| - 1];
      assert Joined(b) == Joined(b[..|b| - 1]) + "\n\n" + b[|b| - 1];
    }
  }
}
