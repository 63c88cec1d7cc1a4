/** Translation of a chat completion stream into Anthropic message events, and back. */
module AnthropicStream {
  import opened Prelude
  import opened ChatStream
  import opened Sets

  datatype Block = TextBlock | ThinkingBlock | ToolBlock(id: string, name: string) | OtherBlock

  datatype Delta = TextDelta(text: string) | ThinkingDelta(thinking: string) | JsonDelta(json: string)

  datatype Event =
    | MessageStart
    | BlockStart(index: nat, block: Block)
    | BlockDelta(index: nat, delta: Delta)
    | BlockStop(index: nat)
    | MessageDelta(stopReason: string)
    | MessageStop

  // ---------------------------------------------------------------- chat to Anthropic

  datatype CallState = CallState(block: nat, id: string, name: string, arguments: string)

  datatype State = State(blockIndex: nat, textOpen: bool, calls: map<nat, CallState>, stopReason: string)

  const INITIAL := State(0, false, map[], "end_turn")

  function StopReason(finish: string): string {
    if finish == "tool_calls" then "tool_use" else if finish == "length" then "max_tokens" else "end_turn"
  }

  function Closed(s: State): State {
    if s.textOpen then s.(textOpen := false, blockIndex := s.blockIndex + 1) else s
  }

  function CloseEvents(s: State): seq<Event> {
    if s.textOpen then [BlockStop(s.blockIndex)] else []
  }

  function Opened(s: State, d: CallDelta): State {
    if d.index in s.calls then s
    else s.(calls := s.calls[d.index := CallState(s.blockIndex, d.id.GetOr(""), d.name.GetOr(""), "")],
            blockIndex := s.blockIndex + 1)
  }

  function OpenEvents(s: State, d: CallDelta): seq<Event> {
    if d.index in s.calls then [] else [BlockStart(s.blockIndex, ToolBlock(d.id.GetOr(""), d.name.GetOr("")))]
  }

  function Extended(s: State, d: CallDelta): State
    requires d.index in s.calls
  {
    var call := s.calls[d.index];
    s.(calls := s.calls[d.index := call.(arguments := call.arguments + d.arguments.GetOr(""))])
  }

  function ExtendEvents(s: State, d: CallDelta): seq<Event>
    requires d.index in s.calls
  {
    if d.arguments.GetOr("") == "" then [] else [BlockDelta(s.calls[d.index].block, JsonDelta(d.arguments.value))]
  }

  function Step(s: State, a: Atom): State {
    match a
    case Finish(reason) => s.(stopReason := StopReason(reason))
    case Text(_) => s.(textOpen := true)
    case CallsBegin => Closed(s)
    case Call(d) => Extended(Opened(Closed(s), d), d)
  }

  function StepEvents(s: State, a: Atom): seq<Event> {
    match a
    case Finish(_) => []
    case Text(text) =>
      (if s.textOpen then [] else [BlockStart(s.blockIndex, TextBlock)]) + [BlockDelta(s.blockIndex, TextDelta(text))]
    case CallsBegin => CloseEvents(s)
    case Call(d) =>
      CloseEvents(s) + OpenEvents(Closed(s), d) + ExtendEvents(Opened(Closed(s), d), d)
  }

  function Steps(s: State, atoms: seq<Atom>): State {
    if atoms == [] then s else Step(Steps(s, atoms[..|atoms| - 1]), atoms[|atoms| - 1])
  }

  function Events(s: State, atoms: seq<Atom>): seq<Event> {
    if atoms == [] then []
    else Events(s, atoms[..|atoms| - 1]) + StepEvents(Steps(s, atoms[..|atoms| - 1]), atoms[|atoms| - 1])
  }

  lemma {:induction false} StepsAppend(s: State, a: seq<Atom>, b: seq<Atom>)
    ensures Steps(s, a + b) == Steps(Steps(s, a), b)
    ensures Events(s, a + b) == Events(s, a) + Events(Steps(s, a), b)
  {
    hide Step, StepEvents;
    if b == [] {
      assert a + b == a;
    } else {
      StepsAppend(s, a, b[..|b| - 1]);
      assert (a + b)[..|a + b| - 1] == a + b[..|b| - 1];
    }
  }

  function StopEvents(calls: map<nat, CallState>, keys: seq<nat>): (events: seq<Event>)
    requires forall i :: 0 <= i < |keys| ==> keys[i] in calls
    ensures |events| == |keys|
  {
    seq(|keys|, i requires 0 <= i < |keys| => BlockStop(calls[keys[i]].block))
  }

  function FinishEvents(s: State): seq<Event> {
    AscendingMembers(s.calls.Keys);
    (if s.textOpen then [BlockStop(s.blockIndex)] else [])
    + StopEvents(s.calls, Ascending(s.calls.Keys))
    + [MessageDelta(s.stopReason), MessageStop]
  }

  class ChatToAnthropicStream {
    var blockIndex: nat
    var textOpen: bool
    var calls: map<nat, CallState>
    var started: bool
    var stopReason: string

    function Now(): State
      reads this
    {
      State(blockIndex, textOpen, calls, stopReason)
    }

    constructor ()
      ensures Now() == INITIAL && !started
    {
      blockIndex, textOpen, calls, started, stopReason := 0, false, map[], false, "end_turn";
    }

    method Translate(chunk: Chunk) returns (events: seq<Event>)
      modifies this
      ensures started && Now() == Steps(old(Now()), ChoicesAtoms(chunk.choices))
      ensures events == (if old(started) then [] else [MessageStart]) + Events(old(Now()), ChoicesAtoms(chunk.choices))
    {
      hide Step, StepEvents, ChoiceAtoms, Steps, Events;
      events := [];
      StepsNone(Now());
      if !started {
        started := true;
        events := events + [MessageStart];
      }
      ghost var preamble := events;
      for i := 0 to |chunk.choices|
        invariant started && Now() == Steps(old(Now()), ChoicesAtoms(chunk.choices[..i]))
        invariant events == preamble + Events(old(Now()), ChoicesAtoms(chunk.choices[..i]))
      {
        var more := TranslateChoice(chunk.choices[i]);
        events := events + more;
        assert chunk.choices[..i + 1][..i] == chunk.choices[..i];
        assert ChoicesAtoms(chunk.choices[..i + 1]) == ChoicesAtoms(chunk.choices[..i]) + ChoiceAtoms(chunk.choices[i]);
        StepsAppend(old(Now()), ChoicesAtoms(chunk.choices[..i]), ChoiceAtoms(chunk.choices[i]));
      }
      assert chunk.choices[..|chunk.choices|] == chunk.choices;
    }

    method TranslateText(text: string) returns (events: seq<Event>)
      modifies this
      ensures Now() == Step(old(Now()), Text(text)) && started == old(started)
      ensures events == StepEvents(old(Now()), Text(text))
    {
      events := [];
      if !textOpen {
        textOpen := true;
        events := events + [BlockStart(blockIndex, TextBlock)];
      }
      events := events + [BlockDelta(blockIndex, TextDelta(text))];
    }

    method CloseText() returns (events: seq<Event>)
      modifies this
      ensures Now() == Step(old(Now()), CallsBegin) && !textOpen && started == old(started)
      ensures events == StepEvents(old(Now()), CallsBegin)
    {
      events := [];
      if textOpen {
        events := events + [BlockStop(blockIndex)];
        textOpen, blockIndex := false, blockIndex + 1;
      }
    }

    method NoteFinish(reason: string)
      modifies this
      ensures Now() == Step(old(Now()), Finish(reason)) && started == old(started)
      ensures StepEvents(old(Now()), Finish(reason)) == []
    {
      stopReason := StopReason(reason);
    }

    method TranslateChoice(choice: Choice) returns (events: seq<Event>)
      modifies this
      ensures Now() == Steps(old(Now()), ChoiceAtoms(choice)) && started == old(started)
      ensures events == Events(old(Now()), ChoiceAtoms(choice))
    {
      hide Steps, Events, Step, StepEvents, CallAtoms, Now;
      ghost var first := Now();
      events := [];
      ghost var atoms: seq<Atom> := [];
      StepsNone(first);
      if choice.finish.Some? {
        OneMore(first, atoms, Finish(choice.finish.value));
        NoteFinish(choice.finish.value);
        atoms := atoms + [Finish(choice.finish.value)];
        assert events + [] == events;
      }
      assert Now() == Steps(first, atoms) && events == Events(first, atoms);
      if choice.content.Some? && choice.content.value != "" {
        OneMore(first, atoms, Text(choice.content.value));
        var more := TranslateText(choice.content.value);
        events, atoms := events + more, atoms + [Text(choice.content.value)];
      }
      assert Now() == Steps(first, atoms) && events == Events(first, atoms);
      if choice.calls.Some? {
        OneMore(first, atoms, CallsBegin);
        var more := CloseText();
        events, atoms := events + more, atoms + [CallsBegin];
        StepsAppend(first, atoms, CallAtoms(choice.calls.value));
        more := TranslateCalls(choice.calls.value);
        events, atoms := events + more, atoms + CallAtoms(choice.calls.value);
      }
      assert Now() == Steps(first, atoms) && events == Events(first, atoms);
      AtomsOfChoice(choice, atoms);
    }

    method TranslateCall(d: CallDelta) returns (events: seq<Event>)
      requires !textOpen
      modifies this
      ensures Now() == Step(old(Now()), Call(d)) && !textOpen && started == old(started)
      ensures events == StepEvents(old(Now()), Call(d))
    {
      events := [];
      ghost var before := Now();
      if d.index !in calls {
        var id, name := d.id.GetOr(""), d.name.GetOr("");
        var index := blockIndex;
        blockIndex := blockIndex + 1;
        calls := calls[d.index := CallState(index, id, name, "")];
        events := events + [BlockStart(index, ToolBlock(id, name))];
      }
      assert Now() == Opened(before, d) && events == OpenEvents(before, d);
      if d.arguments.Some? && d.arguments.value != "" {
        calls := calls[d.index := calls[d.index].(arguments := calls[d.index].arguments + d.arguments.value)];
        events := events + [BlockDelta(calls[d.index].block, JsonDelta(d.arguments.value))];
      }
      CallStepIs(before, Now(), d);
      CallEventsAre(before, d, events);
    }

    method TranslateCalls(deltas: seq<CallDelta>) returns (events: seq<Event>)
      requires !textOpen
      modifies this
      ensures Now() == Steps(old(Now()), CallAtoms(deltas)) && started == old(started)
      ensures events == Events(old(Now()), CallAtoms(deltas))
    {
      hide Step, StepEvents;
      events := [];
      for i := 0 to |deltas|
        invariant !textOpen && started == old(started)
        invariant Now() == Steps(old(Now()), CallAtoms(deltas[..i]))
        invariant events == Events(old(Now()), CallAtoms(deltas[..i]))
      {
        var more := TranslateCall(deltas[i]);
        events := events + more;
        assert CallAtoms(deltas[..i + 1])[..i] == CallAtoms(deltas[..i]);
      }
      assert deltas[..|deltas|] == deltas;
    }

    method StopCalls() returns (events: seq<Event>)
      ensures forall k :: k in Ascending(calls.Keys) ==> k in calls
      ensures events == StopEvents(calls, Ascending(calls.Keys))
    {
      AscendingMembers(calls.Keys);
      var keys := Ascending(calls.Keys);
      hide Ascending;
      events := [];
      for i := 0 to |keys|
        invariant events == StopEvents(calls, keys[..i])
      {
        events := events + [BlockStop(calls[keys[i]].block)];
      }
      assert keys[..|keys|] == keys;
    }

    /** Ends the stream; called once, after the last chunk. */
    method FinishStream() returns (events: seq<Event>)
      ensures events == FinishEvents(Now())
    {
      hide Ascending, StopEvents;
      events := [];
      if textOpen {
        events := events + [BlockStop(blockIndex)];
      }
      var stops := StopCalls();
      events := events + stops;
      events := events + [MessageDelta(stopReason)];
      events := events + [MessageStop];
    }
  }

  lemma CallEventsAre(before: State, d: CallDelta, events: seq<Event>)
    requires !before.textOpen
    requires events == OpenEvents(before, d)
                       + if d.arguments.Some? && d.arguments.value != ""
                         then [BlockDelta(Opened(before, d).calls[d.index].block, JsonDelta(d.arguments.value))] else []
    ensures events == StepEvents(before, Call(d))
  {
    assert [] + events == events;
  }

  lemma OneMore(s: State, atoms: seq<Atom>, a: Atom)
    ensures Steps(s, atoms + [a]) == Step(Steps(s, atoms), a)
    ensures Events(s, atoms + [a]) == Events(s, atoms) + StepEvents(Steps(s, atoms), a)
  {
    hide Step, StepEvents;
    assert (atoms + [a])[..|atoms|] == atoms;
  }

  lemma AtomsOfChoice(choice: Choice, atoms: seq<Atom>)
    requires atoms == (([] + if choice.finish.Some? then [Finish(choice.finish.value)] else [])
                      + if choice.content.Some? && choice.content.value != "" then [Text(choice.content.value)] else [])
                      + if choice.calls.Some? then [CallsBegin] + CallAtoms(choice.calls.value) else []
    ensures atoms == ChoiceAtoms(choice)
  {
  }

  lemma StepsNone(s: State)
    ensures Steps(s, []) == s && Events(s, []) == []
  {
  }

  /** Appending an absent or empty fragment of arguments leaves a call as it is. */
  lemma CallStepIs(before: State, after: State, d: CallDelta)
    requires !before.textOpen
    requires after == (var o := Opened(before, d);
                       if d.arguments.Some? && d.arguments.value != "" then Extended(o, d) else o)
    ensures after == Step(before, Call(d))
  {
    var o := Opened(before, d);
    assert o.calls[d.index].arguments + "" == o.calls[d.index].arguments;
    assert o.calls[d.index := o.calls[d.index]] == o.calls;
  }

  // ---------------------------------------------------------------- Anthropic to chat

  datatype BlockKind = ThinkingKind | TextKind | ToolKind(callIndex: nat)

  datatype BackState = BackState(blocks: map<nat, BlockKind>, nextCallIndex: nat)

  function RoleOnly(): Chunk { Chunk([Choice(None, None, None, None)]) }

  function CallChunk(d: CallDelta): Chunk { Chunk([Choice(None, None, Some([d]), None)]) }

  function FinishFor(stopReason: string): string {
    if stopReason == "tool_use" then "tool_calls" else if stopReason == "max_tokens" then "length" else "stop"
  }

  function Back(s: BackState, e: Event): BackState {
    match e
    case BlockStart(index, TextBlock) => s.(blocks := s.blocks[index := TextKind])
    case BlockStart(index, ThinkingBlock) => s.(blocks := s.blocks[index := ThinkingKind])
    case BlockStart(index, ToolBlock(_, _)) =>
      BackState(s.blocks[index := ToolKind(s.nextCallIndex)], s.nextCallIndex + 1)
    case _ => s
  }

  function DeltaText(d: Delta): string { if d.TextDelta? then d.text else "" }

  function DeltaJson(d: Delta): string { if d.JsonDelta? then d.json else "" }

  function DeltaThinking(d: Delta): string { if d.ThinkingDelta? then d.thinking else "" }

  /** The chat chunks of one event. */
  function BackChunks(s: BackState, e: Event): seq<Chunk> {
    match e
    case MessageStart => [RoleOnly()]
    case BlockStart(_, ToolBlock(id, name)) => [CallChunk(CallDelta(s.nextCallIndex, Some(id), Some(name), Some("")))]
    case BlockDelta(index, delta) =>
      if index !in s.blocks then []
      else
        (match s.blocks[index]
         case ThinkingKind => [Chunk([Choice(None, None, None, Some(DeltaThinking(delta)))])]
         case TextKind => [Chunk([Choice(None, Some(DeltaText(delta)), None, None)])]
         case ToolKind(k) => [CallChunk(CallDelta(k, None, None, Some(DeltaJson(delta))))])
    case MessageDelta(stopReason) => [Chunk([Choice(Some(FinishFor(stopReason)), None, None, None)])]
    case _ => []
  }

  function Backs(s: BackState, events: seq<Event>): BackState {
    if events == [] then s else Back(Backs(s, events[..|events| - 1]), events[|events| - 1])
  }

  function ChatChunks(s: BackState, events: seq<Event>): seq<Chunk> {
    if events == [] then []
    else ChatChunks(s, events[..|events| - 1]) + BackChunks(Backs(s, events[..|events| - 1]), events[|events| - 1])
  }

  class AnthropicToChatStream {
    var blocks: map<nat, BlockKind>
    var nextCallIndex: nat

    function Now(): BackState
      reads this
    {
      BackState(blocks, nextCallIndex)
    }

    constructor ()
      ensures Now() == BackState(map[], 0)
    {
      blocks, nextCallIndex := map[], 0;
    }

    method Translate(e: Event) returns (chunks: seq<Chunk>)
      modifies this
      ensures Now() == Back(old(Now()), e) && chunks == BackChunks(old(Now()), e)
    {
      match e {
        case MessageStart => chunks := [RoleOnly()];
        case BlockStart(index, block) =>
          match block {
            case ThinkingBlock => blocks, chunks := blocks[index := ThinkingKind], [];
            case TextBlock => blocks, chunks := blocks[index := TextKind], [];
            case ToolBlock(id, name) =>
              var callIndex := nextCallIndex;
              nextCallIndex := nextCallIndex + 1;
              blocks := blocks[index := ToolKind(callIndex)];
              chunks := [CallChunk(CallDelta(callIndex, Some(id), Some(name), Some("")))];
            case OtherBlock => chunks := [];
          }
        case BlockDelta(index, delta) =>
          if index !in blocks {
            chunks := [];
          } else {
            match blocks[index] {
              case ThinkingKind => chunks := [Chunk([Choice(None, None, None, Some(DeltaThinking(delta)))])];
              case TextKind => chunks := [Chunk([Choice(None, Some(DeltaText(delta)), None, None)])];
              case ToolKind(callIndex) =>
                chunks := [CallChunk(CallDelta(callIndex, None, None, Some(DeltaJson(delta))))];
            }
          }
        case MessageDelta(stopReason) => chunks := [Chunk([Choice(Some(FinishFor(stopReason)), None, None, None)])];
        case BlockStop(_) => chunks := [];
        case MessageStop => chunks := [];
      }
    }
  }
}
