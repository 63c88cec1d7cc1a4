/** What a client assembles from any sequence of Anthropic events, in whatever order they come. */
module AnthropicBack {
  import opened Prelude
  import opened ChatStream
  import opened AnthropicStream
  import opened AnthropicRuns

  // ---------------------------------------------------------------- read off the events

  /** The block that the index stands for: the last one of a known type that was started with it. */
  function BlockAt(events: seq<Event>, index: nat): Option<Block> {
    if events == [] then None
    else
      var (front, last) := (events[..|events| - 1], events[|events| - 1]);
      if last.BlockStart? && last.index == index && last.block != OtherBlock then Some(last.block)
      else BlockAt(front, index)
  }

  /** The deltas of the text blocks. */
  function TextIn(events: seq<Event>): string {
    if events == [] then ""
    else
      var (front, last) := (events[..|events| - 1], events[|events| - 1]);
      TextIn(front)
      + if last.BlockDelta? && last.delta.TextDelta? && BlockAt(front, last.index) == Some(TextBlock)
        then last.delta.text else ""
  }

  /** The deltas of the thinking blocks. */
  function ThinkingIn(events: seq<Event>): string {
    if events == [] then ""
    else
      var (front, last) := (events[..|events| - 1], events[|events| - 1]);
      ThinkingIn(front)
      + if last.BlockDelta? && last.delta.ThinkingDelta? && BlockAt(front, last.index) == Some(ThinkingBlock)
        then last.delta.thinking else ""
  }

  function ToolsStarted(events: seq<Event>): nat {
    if events == [] then 0
    else
      var (front, last) := (events[..|events| - 1], events[|events| - 1]);
      ToolsStarted(front) + if last.BlockStart? && last.block.ToolBlock? then 1 else 0
  }

  /** Which of the tool blocks the index stands for. */
  function ToolAt(events: seq<Event>, index: nat): Option<nat> {
    if events == [] then None
    else
      var (front, last) := (events[..|events| - 1], events[|events| - 1]);
      if last.BlockStart? && last.index == index && last.block.ToolBlock? then Some(ToolsStarted(front))
      else if last.BlockStart? && last.index == index && last.block != OtherBlock then None
      else ToolAt(front, index)
  }

  /** The deltas of the tool block with the number. */
  function ArgumentsIn(events: seq<Event>, tool: nat): string {
    if events == [] then ""
    else
      var (front, last) := (events[..|events| - 1], events[|events| - 1]);
      ArgumentsIn(front, tool)
      + if last.BlockDelta? && last.delta.JsonDelta? && ToolAt(front, last.index) == Some(tool)
        then last.delta.json else ""
  }

  /** One call for each tool block, in the order in which they start. */
  function Tools(events: seq<Event>): seq<Block> {
    if events == [] then []
    else
      var (front, last) := (events[..|events| - 1], events[|events| - 1]);
      Tools(front) + if last.BlockStart? && last.block.ToolBlock? then [last.block] else []
  }

  /** The reason that was given last. */
  function FinishIn(events: seq<Event>): string {
    if events == [] then "stop"
    else
      var (front, last) := (events[..|events| - 1], events[|events| - 1]);
      if !last.MessageDelta? then FinishIn(front)
      else if last.stopReason == "tool_use" then "tool_calls"
      else if last.stopReason == "max_tokens" then "length"
      else "stop"
  }

  ghost predicate ShowsTools(calls: seq<AssembledCall>, events: seq<Event>) {
    && |calls| == |Tools(events)|
    && forall k :: 0 <= k < |calls| ==>
         && Tools(events)[k].ToolBlock?
         && calls[k] == AssembledCall(k, Tools(events)[k].id, Tools(events)[k].name, ArgumentsIn(events, k))
  }

  // ---------------------------------------------------------------- reasoning of chunks

  function ReasoningOfChoices(choices: seq<Choice>): string {
    if choices == [] then ""
    else ReasoningOfChoices(choices[..|choices| - 1]) + choices[|choices| - 1].reasoning.GetOr("")
  }

  function Reasoning(chunks: seq<Chunk>): string {
    if chunks == [] then ""
    else Reasoning(chunks[..|chunks| - 1]) + ReasoningOfChoices(chunks[|chunks| - 1].choices)
  }

  // ---------------------------------------------------------------- the state

  function KindOf(events: seq<Event>, index: nat): Option<BlockKind> {
    if ToolAt(events, index).Some? then Some(ToolKind(ToolAt(events, index).value))
    else if BlockAt(events, index) == Some(TextBlock) then Some(TextKind)
    else if BlockAt(events, index) == Some(ThinkingBlock) then Some(ThinkingKind)
    else None
  }

  ghost predicate Knows(b: BackState, events: seq<Event>) {
    && b.nextCallIndex == ToolsStarted(events)
    && forall index :: KindOf(events, index) == if index in b.blocks then Some(b.blocks[index]) else None
  }

  lemma {:induction false} BackKnows(events: seq<Event>)
    ensures Knows(Backs(BACK_INITIAL, events), events)
  {
    if events != [] {
      BackKnows(events[..|events| - 1]);
    }
  }

  lemma {:induction false} ToolAtIs(events: seq<Event>, index: nat)
    ensures ToolAt(events, index).Some? ==> ToolAt(events, index).value < ToolsStarted(events)
    ensures ToolAt(events, index).Some? <==> BlockAt(events, index).Some? && BlockAt(events, index).value.ToolBlock?
    ensures |Tools(events)| == ToolsStarted(events)
  {
    if events != [] {
      ToolAtIs(events[..|events| - 1], index);
    }
  }

  lemma {:induction false} UnstartedIsEmpty(events: seq<Event>, tool: nat)
    requires tool >= ToolsStarted(events)
    ensures ArgumentsIn(events, tool) == ""
  {
    if events != [] {
      var (front, last) := (events[..|events| - 1], events[|events| - 1]);
      UnstartedIsEmpty(front, tool);
      if last.BlockDelta? {
        ToolAtIs(front, last.index);
      }
    }
  }

  // ---------------------------------------------------------------- one more event

  lemma AddsChoice(n: Message, b: BackState, e: Event, choice: Choice)
    requires BackChunks(b, e) == [Chunk([choice])]
    ensures Added(n, b, [e]) == AbsorbAll(n, ChoiceAtoms(choice))
  {
    hide BackChunks, ChoiceAtoms;
    BacksOne(b, e);
    AtomsOfOne(choice);
  }

  /** Everything but deltas of text and tool blocks, starts of tool blocks and finish reasons. */
  predicate IsQuiet(b: BackState, e: Event) {
    match e
    case BlockDelta(index, _) => index !in b.blocks || b.blocks[index] == ThinkingKind
    case BlockStart(_, block) => !block.ToolBlock?
    case MessageDelta(_) => false
    case _ => true
  }

  lemma QuietAdds(n: Message, b: BackState, e: Event)
    requires IsQuiet(b, e)
    ensures Added(n, b, [e]) == n
  {
    if BackChunks(b, e) == [] {
      AddsNothing(n, b, e);
    } else {
      var thinking := if e.MessageStart? then None else Some(DeltaThinking(e.delta));
      AddsChoice(n, b, e, Choice(None, None, None, thinking));
      assert ChoiceAtoms(Choice(None, None, None, thinking)) == [];
      AbsorbFew(n, CallsBegin);
    }
  }

  lemma TextAdds(n: Message, b: BackState, index: nat, delta: Delta)
    requires index in b.blocks && b.blocks[index] == TextKind
    ensures Added(n, b, [BlockDelta(index, delta)]) == n.(text := n.text + DeltaText(delta))
  {
    var choice := Choice(None, Some(DeltaText(delta)), None, None);
    AddsChoice(n, b, BlockDelta(index, delta), choice);
    if DeltaText(delta) == "" {
      assert ChoiceAtoms(choice) == [] && n.text + "" == n.text;
      AbsorbFew(n, CallsBegin);
    } else {
      assert ChoiceAtoms(choice) == [Text(DeltaText(delta))];
      AbsorbFew(n, Text(DeltaText(delta)));
    }
  }

  lemma ShowsAt(calls: seq<AssembledCall>, events: seq<Event>, key: nat)
    requires ShowsTools(calls, events)
    ensures IndexOf(calls, key) == if key < |calls| then Some(key) else None
  {
    var i := IndexOf(calls, key);
    if key < |calls| {
      assert calls[key].key == key;
    }
  }

  lemma ToolsGrow(events: seq<Event>, e: Event, k: nat)
    ensures Tools(events + [e]) == Tools(events) + if e.BlockStart? && e.block.ToolBlock? then [e.block] else []
    ensures ArgumentsIn(events + [e], k)
            == ArgumentsIn(events, k)
               + if e.BlockDelta? && ToolAt(events, e.index) == Some(k) then DeltaJson(e.delta) else ""
  {
    assert (events + [e])[..|events|] == events;
  }

  lemma StartAddsTool(n: Message, events: seq<Event>, index: nat, id: string, name: string)
    requires ShowsTools(n.calls, events)
    ensures var more := events + [BlockStart(index, ToolBlock(id, name))];
            var m := Added(n, Backs(BACK_INITIAL, events), [BlockStart(index, ToolBlock(id, name))]);
            m.text == n.text && m.finish == n.finish && ShowsTools(m.calls, more)
  {
    var (b, e) := (Backs(BACK_INITIAL, events), BlockStart(index, ToolBlock(id, name)));
    BackKnows(events);
    ToolAtIs(events, index);
    var d := CallDelta(b.nextCallIndex, Some(id), Some(name), Some(""));
    AddsCall(n, b, e, d);
    ShowsAt(n.calls, events, d.index);
    UnstartedIsEmpty(events, d.index);
    hide Added, Backs, IndexOf, Tools, ArgumentsIn, ToolAt, Knows, BackChunks;
    forall k: nat
      ensures ArgumentsIn(events + [e], k) == ArgumentsIn(events, k) && Tools(events + [e]) == Tools(events) + [e.block]
    {
      ToolsGrow(events, e, k);
      assert ArgumentsIn(events, k) + "" == ArgumentsIn(events, k);
    }
    ToolsGrow(events, e, 0);
  }

  lemma DeltaAddsArguments(n: Message, events: seq<Event>, index: nat, delta: Delta)
    requires ShowsTools(n.calls, events) && ToolAt(events, index).Some?
    ensures var m := Added(n, Backs(BACK_INITIAL, events), [BlockDelta(index, delta)]);
            m.text == n.text && m.finish == n.finish && ShowsTools(m.calls, events + [BlockDelta(index, delta)])
  {
    var (b, e, k) := (Backs(BACK_INITIAL, events), BlockDelta(index, delta), ToolAt(events, index).value);
    BackKnows(events);
    ToolAtIs(events, index);
    assert KindOf(events, index) == Some(ToolKind(k));
    AddsCall(n, b, e, CallDelta(k, None, None, Some(DeltaJson(delta))));
    hide Added, Backs, BackChunks, Knows, KindOf;
    LongerShows(n.calls, events, e, k);
  }

  lemma LongerShows(calls: seq<AssembledCall>, events: seq<Event>, e: Event, k: nat)
    requires ShowsTools(calls, events) && e.BlockDelta? && ToolAt(events, e.index) == Some(k) && k < |Tools(events)|
    ensures ShowsTools(WithCall(calls, CallDelta(k, None, None, Some(DeltaJson(e.delta)))), events + [e])
  {
    ShowsAt(calls, events, k);
    hide IndexOf, Tools, ArgumentsIn, ToolAt;
    forall j: nat
      ensures ArgumentsIn(events + [e], j) == ArgumentsIn(events, j) + if j == k then DeltaJson(e.delta) else ""
    {
      ToolsGrow(events, e, j);
    }
    ToolsGrow(events, e, 0);
    assert Tools(events) + [] == Tools(events);
    forall j: nat | j < |calls| && j != k
      ensures ArgumentsIn(events + [e], j) == ArgumentsIn(events, j)
    {
      assert ArgumentsIn(events, j) + "" == ArgumentsIn(events, j);
    }
  }

  lemma OtherEventKeepsTools(calls: seq<AssembledCall>, events: seq<Event>, e: Event)
    requires ShowsTools(calls, events) && !(e.BlockStart? && e.block.ToolBlock?)
    requires e.BlockDelta? ==> ToolAt(events, e.index).None?
    ensures ShowsTools(calls, events + [e])
  {
    hide Tools, ArgumentsIn, ToolAt;
    forall k: nat
      ensures ArgumentsIn(events + [e], k) == ArgumentsIn(events, k) && Tools(events + [e]) == Tools(events)
    {
      ToolsGrow(events, e, k);
      assert ArgumentsIn(events, k) + "" == ArgumentsIn(events, k) && Tools(events) + [] == Tools(events);
    }
    ToolsGrow(events, e, 0);
  }

  ghost predicate Shows(m: Message, events: seq<Event>) {
    m.text == TextIn(events) && m.finish == FinishIn(events) && ShowsTools(m.calls, events)
  }

  lemma OneMoreEvent(n: Message, events: seq<Event>, e: Event)
    requires Shows(n, events)
    ensures Shows(Added(n, Backs(BACK_INITIAL, events), [e]), events + [e])
  {
    var b := Backs(BACK_INITIAL, events);
    BackKnows(events);
    assert (events + [e])[..|events|] == events;
    if e.BlockDelta? {
      assert KindOf(events, e.index) == if e.index in b.blocks then Some(b.blocks[e.index]) else None;
      ToolAtIs(events, e.index);
    }
    assert n.text + "" == n.text;
    hide Knows, Added, Backs, ShowsTools;
    if e.BlockStart? && e.block.ToolBlock? {
      StartAddsTool(n, events, e.index, e.block.id, e.block.name);
    } else if e.BlockDelta? && ToolAt(events, e.index).Some? {
      DeltaAddsArguments(n, events, e.index, e.delta);
    } else {
      OtherEventKeepsTools(n.calls, events, e);
      if e.BlockDelta? && BlockAt(events, e.index) == Some(TextBlock) {
        TextAdds(n, b, e.index, e.delta);
      } else if e.MessageDelta? {
        ReasonAdds(n, b, e.stopReason);
      } else {
        QuietAdds(n, b, e);
      }
    }
  }

  lemma ReasoningGrows(chunks: seq<Chunk>, more: seq<Chunk>)
    requires |more| <= 1
    ensures Reasoning(chunks + more)
            == Reasoning(chunks) + if more == [] then "" else ReasoningOfChoices(more[0].choices)
  {
    if more == [] {
      assert chunks + more == chunks;
    } else {
      assert (chunks + more)[..|chunks|] == chunks;
    }
  }

  lemma EventReasons(events: seq<Event>, e: Event)
    ensures var more := BackChunks(Backs(BACK_INITIAL, events), e);
            && |more| <= 1
            && (if more == [] then "" else ReasoningOfChoices(more[0].choices))
               == if e.BlockDelta? && e.delta.ThinkingDelta? && BlockAt(events, e.index) == Some(ThinkingBlock)
                  then e.delta.thinking else ""
  {
    var b := Backs(BACK_INITIAL, events);
    BackKnows(events);
    if e.BlockDelta? {
      assert KindOf(events, e.index) == if e.index in b.blocks then Some(b.blocks[e.index]) else None;
      ToolAtIs(events, e.index);
    }
    hide Knows, Backs;
    var more := BackChunks(b, e);
    if more != [] {
      assert more[0].choices == [more[0].choices[0]];
      assert more[0].choices[..0] == [];
    }
  }

  /** Whatever events come, the chunks assemble to the deltas of the text blocks, to one call for each
    * tool block with the deltas of that block as its arguments, and to the reason given last; and the
    * reasoning of the chunks is that of the thinking blocks. */
  lemma {:induction false} EventsAssemble(events: seq<Event>)
    ensures var chunks := ChatChunks(BACK_INITIAL, events);
            var m := Assemble(Atoms(chunks));
            && m.text == TextIn(events) && m.finish == FinishIn(events) && ShowsTools(m.calls, events)
            && Reasoning(chunks) == ThinkingIn(events)
  {
    AssembledChunks(ChatChunks(BACK_INITIAL, events), BACK_INITIAL, events);
    if events == [] {
      BacksOne(BACK_INITIAL, MessageStop);
      AddsNothing(EMPTY_MESSAGE, BACK_INITIAL, MessageStop);
    } else {
      var (front, e) := (events[..|events| - 1], events[|events| - 1]);
      assert front + [e] == events;
      EventsAssemble(front);
      AssembledChunks(ChatChunks(BACK_INITIAL, front), BACK_INITIAL, front);
      AddedAppends(EMPTY_MESSAGE, BACK_INITIAL, front, [e]);
      var n := Added(EMPTY_MESSAGE, BACK_INITIAL, front);
      EventReasons(front, e);
      hide Added, Backs, BackChunks, ShowsTools, TextIn, FinishIn, Assemble, Atoms, Reasoning;
      OneMoreEvent(n, front, e);
      ReasoningGrows(ChatChunks(BACK_INITIAL, front), BackChunks(Backs(BACK_INITIAL, front), e));
    }
  }

  // ---------------------------------------------------------------- the reason of a translated stream

  lemma {:induction false} ReasonFollowsFinish(atoms: seq<Atom>)
    ensures var finish := Assemble(atoms).finish;
            Steps(INITIAL, atoms).stopReason
            == if finish == "tool_calls" then "tool_use" else if finish == "length" then "max_tokens" else "end_turn"
  {
    if atoms != [] {
      ReasonFollowsFinish(atoms[..|atoms| - 1]);
      hide WithCall, Extended, Opened, Closed;
    }
  }

  /** The last event but one of a translated chat stream gives the reason that the stream gave last. */
  lemma OutputGivesReason(chunks: seq<Chunk>)
    ensures var (events, finish) := (Output(chunks), Assemble(Atoms(chunks)).finish);
            |events| >= 2 && events[|events| - 2]
            == MessageDelta(if finish == "tool_calls" then "tool_use" else if finish == "length" then "max_tokens"
                            else "end_turn")
  {
    ReasonFollowsFinish(Atoms(chunks));
    hide Steps, Assemble, Atoms, Streamed, Closed;
  }
}
